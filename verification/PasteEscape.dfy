/** How a path is written for the program on the other side of the pty, and how it is read. */
module PasteEscape {
  import opened Wrappers

  predicate Ascii(c: char) {
    c as int < 0x80
  }

  predicate Control(c: char) {
    c as int < 0x20 || 0x7F <= c as int < 0xA0
  }

  predicate Alphanumeric(c: char) {
    'a' <= c <= 'z' || 'A' <= c <= 'Z' || '0' <= c <= '9'
  }

  const INERT := "/._-+@%,=:"

  predicate NeedsEscape(c: char) {
    Ascii(c) && !Alphanumeric(c) && c !in INERT
  }

  function Escaped(text: string): (out: string) {
    if text == [] then []
    else
      var last := text[|text| - 1];
      Escaped(text[..|text| - 1]) + (if NeedsEscape(last) then ['\\', last] else [last])
  }

  /** None for a path with a control character in it: no spelling of it would survive. */
  method EscapeForPaste(text: string) returns (out: Option<string>)
    ensures out == if exists i :: 0 <= i < |text| && Control(text[i]) then None else Some(Escaped(text))
  {
    var i := 0;
    while i < |text|
      invariant i <= |text| && forall j :: 0 <= j < i ==> !Control(text[j])
    {
      if Control(text[i]) {
        return None;
      }
      i := i + 1;
    }
    var s: string := [];
    i := 0;
    while i < |text|
      invariant i <= |text| && s == Escaped(text[..i])
    {
      if NeedsEscape(text[i]) {
        s := s + ['\\'];
      }
      s := s + [text[i]];
      assert text[..i + 1][..i] == text[..i];
      i := i + 1;
    }
    assert text[..i] == text;
    return Some(s);
  }

  /** What a shell reads: a backslash stands for the character after it. */
  function Unescaped(s: string): (out: string) {
    if s == [] then []
    else if s[0] != '\\' then [s[0]] + Unescaped(s[1..])
    else if |s| == 1 then []
    else [s[1]] + Unescaped(s[2..])
  }

  /** The same, from the front. */
  function Front(text: string): (out: string) {
    if text == [] then []
    else (if NeedsEscape(text[0]) then ['\\', text[0]] else [text[0]]) + Front(text[1..])
  }

  lemma {:induction false} FrontIsEscaped(text: string)
    ensures Front(text) == Escaped(text)
    decreases |text|
  {
    if |text| == 1 {
      assert text[1..] == [] && text[..0] == [];
    } else if text != [] {
      var init, last := text[..|text| - 1], text[|text| - 1];
      FrontIsEscaped(text[1..]);
      FrontIsEscaped(init);
      FrontIsEscaped(init[1..]);
      assert text[1..][..|text| - 2] == init[1..] && text[1..][|text| - 2] == last;
    }
  }

  /** Reading an escaped path gives the path back, whatever characters are in it. */
  lemma {:induction false} RoundTrip(text: string)
    ensures Unescaped(Escaped(text)) == text
    decreases |text|
  {
    FrontIsEscaped(text);
    if text != [] {
      RoundTrip(text[1..]);
      FrontIsEscaped(text[1..]);
      var head, rest := if NeedsEscape(text[0]) then ['\\', text[0]] else [text[0]], Front(text[1..]);
      assert Front(text) == head + rest && (head + rest)[|head|..] == rest;
    }
  }

  lemma EscapeIsInjective(a: string, b: string)
    requires Escaped(a) == Escaped(b)
    ensures a == b
  {
    RoundTrip(a);
    RoundTrip(b);
  }

  /** Every character a shell might act on has a backslash of its own before it, and no other
      character has one. */
  predicate Guarded(s: string) {
    s == [] ||
    (if s[0] == '\\' then |s| > 1 && NeedsEscape(s[1]) && Guarded(s[2..]) else !NeedsEscape(s[0]) && Guarded(s[1..]))
  }

  /** The guarded strings are exactly the ones escaping yields. */
  lemma {:induction false} GuardedExactly(s: string)
    ensures Guarded(s) <==> Escaped(Unescaped(s)) == s
    decreases |s|
  {
    FrontIsEscaped(Unescaped(s));
    if s != [] && s[0] != '\\' {
      GuardedExactly(s[1..]);
      FrontIsEscaped(Unescaped(s[1..]));
      assert Unescaped(s)[1..] == Unescaped(s[1..]);
      assert s == [s[0]] + s[1..];
      if !NeedsEscape(s[0]) {
        assert Front(Unescaped(s))[1..] == Front(Unescaped(s[1..]));
      }
    } else if |s| > 1 {
      GuardedExactly(s[2..]);
      FrontIsEscaped(Unescaped(s[2..]));
      assert Unescaped(s)[1..] == Unescaped(s[2..]);
      assert s == [s[0], s[1]] + s[2..];
      if NeedsEscape(s[1]) {
        assert Front(Unescaped(s))[2..] == Front(Unescaped(s[2..]));
      }
    }
  }

  lemma EscapedIsGuarded(text: string)
    ensures Guarded(Escaped(text))
  {
    RoundTrip(text);
    GuardedExactly(Escaped(text));
  }
}
