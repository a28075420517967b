/** A text cut at its newlines. */
module TextPieces {

  function Pieces(text: string): (ps: seq<string>)
    ensures ps != []
  {
    if text == [] then [""]
    else
      var rest := Pieces(text[1..]);
      if text[0] == '\n' then [""] + rest else [[text[0]] + rest[0]] + rest[1..]
  }

  function StripCr(p: string): (r: string) {
    if p != [] && p[|p| - 1] == '\r' then p[..|p| - 1] else p
  }

  function StripAll(ps: seq<string>): (r: seq<string>)
    ensures |r| == |ps| && forall i :: 0 <= i < |ps| ==> r[i] == StripCr(ps[i])
  {
    if ps == [] then [] else [StripCr(ps[0])] + StripAll(ps[1..])
  }

  /** The standard library's `str::lines`: a line ends at a newline, with the carriage return
      before it if there is one, and what follows the last newline is a line unless empty. */
  function TextLines(text: string): (ls: seq<string>) {
    var ps := Pieces(text);
    var last := ps[|ps| - 1];
    StripAll(ps[..|ps| - 1]) + (if last == [] then [] else [last])
  }
}
