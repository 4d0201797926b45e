/** Small vocabulary shared by every component. */
module Basics {

  datatype Option<+T> = None | Some(value: T)

  datatype Result<+T, +E> = Ok(value: T) | Err(error: E)

  /** The elements of a list, as a set. */
  function Elements<T>(xs: seq<T>): set<T> {
    set x | x in xs
  }

  lemma ElementsAppend<T>(xs: seq<T>, x: T)
    ensures Elements(xs + [x]) == Elements(xs) + {x}
  {
    assert x == (xs + [x])[|xs|];
    forall y | y in xs ensures y in xs + [x] {}
  }

  /** `[...new Set(xs)]`: the first occurrence of every element, in order. */
  function Unique<T(==)>(xs: seq<T>): (r: seq<T>)
    ensures Elements(r) == Elements(xs)
    ensures forall i, j | 0 <= i < j < |r| :: r[i] != r[j]
  {
    if xs == [] then [] else
      var before := Unique(xs[..|xs| - 1]);
      var last := xs[|xs| - 1];
      ElementsAppend(xs[..|xs| - 1], last);
      ElementsAppend(before, last);
      assert xs == xs[..|xs| - 1] + [last];
      if last in before then before else before + [last]
  }

  ghost predicate Distinct<T>(xs: seq<T>) {
    forall i, j | 0 <= i < j < |xs| :: xs[i] != xs[j]
  }

  /** `value.split(separator)` */
  function Split(value: string, separator: char): (pieces: seq<string>)
    ensures pieces != []
  {
    if value == [] then [[]]
    else
      var rest := Split(value[1..], separator);
      if value[0] == separator then [[]] + rest else [[value[0]] + rest[0]] + rest[1..]
  }
}
