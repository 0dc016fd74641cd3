/** Optional values, used for SQL NULL and for absent arguments. */
module Options {
  datatype Option<+T> = None | Some(value: T)
}

/** The steady clock counts nanoseconds. */
module Clock {
  const MS := 1_000_000
  const SECOND := 1_000 * MS
}

/** Letter case as the C locale and SQLite's LIKE fold it. */
module Ascii {
  function Lower(c: char): char {
    if 'A' <= c <= 'Z' then ((c as int) + 32) as char else c
  }

  /** Two characters fold alike iff they are equal or the two cases of one letter. */
  lemma LettersMatch(c: char, d: char)
    ensures Lower(c) == Lower(d) <==>
              || c == d
              || ('A' <= c <= 'Z' && d as int == c as int + 32)
              || ('A' <= d <= 'Z' && c as int == d as int + 32)
  {
  }
}
