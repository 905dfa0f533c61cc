/** The result shapes and the list shared by the modules of this project. */
module Prelude {
  datatype Option<+T> = None | Some(value: T)

  datatype List<T> = Nil | Cons(head: T, tail: List<T>)

  function Length<T>(xs: List<T>): nat {
    match xs case Nil => 0 case Cons(_, tail) => 1 + Length(tail)
  }

  datatype Result<+T, +E> = Ok(value: T) | Err(error: E)

  // ASCII case folding.
  function LowerChar(c: char): char {
    if 'A' <= c <= 'Z' then c - 'A' + 'a' else c
  }

  function Lower(s: string): (r: string)
    ensures |r| == |s|
  {
    seq(|s|, i requires 0 <= i < |s| => LowerChar(s[i]))
  }

  // Blanks around a text.
  predicate Space(c: char) {
    c == ' ' || '\t' <= c <= '\r'
  }

  function TrimLeft(v: string): string {
    if v != "" && Space(v[0]) then TrimLeft(v[1..]) else v
  }

  function TrimRight(v: string): string {
    if v != "" && Space(v[|v| - 1]) then TrimRight(v[..|v| - 1]) else v
  }

  function Trim(v: string): string {
    TrimRight(TrimLeft(v))
  }
}
