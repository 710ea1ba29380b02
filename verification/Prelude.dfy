/** Small shared vocabulary: optional values, blank strings, duplicate-free sequences. */
module Prelude {

  datatype Option<+T> = None | Some(value: T)

  /** The space characters that `strings.TrimSpace` strips, within Latin-1. */
  predicate IsSpace(c: char) {
    c == ' ' || ('\t' <= c <= '\r') || c == 0x85 as char || c == 0xA0 as char
  }

  /** `strings.TrimSpace(s) == ""` */
  predicate Blank(s: string) {
    forall i | 0 <= i < |s| :: IsSpace(s[i])
  }

  predicate Distinct<T(==)>(s: seq<T>) {
    forall i, j | 0 <= i < j < |s| :: s[i] != s[j]
  }

  function Elements<T>(s: seq<T>): set<T> {
    set x | x in s
  }

  lemma SomeMember(ids: set<int>)
    ensures ids == {} || exists id :: id in ids
  {
    if forall id :: id !in ids {
      assert ids <= {};
    }
  }
}
